/**
  What every step of the send protocol keeps, and what follows for whole runs:
  no box is ever cast with two plaintexts, the cursor never goes back, and the
  boxes below it hold exactly the finalized plaintexts, in order, each once.

  Each part of the invariant names the tables it is about, so that a step
  keeps every part whose tables it leaves alone.
 */
module OutboundSafety {
  import opened Basics
  import opened OutboundTables
  import opened OutboundRun

  function LogOf(log: map<Uuid, seq<Item>>, s: Uuid): seq<Item> {
    if s in log then log[s] else []
  }

  /** Every identifier in a table is one that was handed out. */
  ghost predicate UsedKept(t: Tables, sealing: map<Uuid, Sealing>, drains: set<Drain>,
                           first: map<Uuid, nat>, claims: map<Box, Item>, used: set<Uuid>) {
    && t.queue.Keys <= used && t.inFlight.Keys <= used && t.sent <= used
    && t.writeCaps.Keys <= used && t.readCaps.Keys <= used
    && sealing.Keys <= used && first.Keys <= used
    && (forall s | s in t.inFlight :: t.inFlight[s].id in used && t.inFlight[s].plaintext in used)
    && (forall s | s in sealing :: sealing[s].plaintext in used)
    && (forall d | d in drains :: d.row.id in used && d.row.plaintext in used)
    && (forall b | b in claims :: claims[b].id in used)
  }

  /** The cursor of a stream is as many boxes past its first as its log is long. */
  ghost predicate CursorsKept(caps: map<Uuid, WriteCap>, first: map<Uuid, nat>, log: map<Uuid, seq<Item>>) {
    && (forall s | s in caps && caps[s].next.Some? ::
          s in first && caps[s].next.value == first[s] + |LogOf(log, s)|)
    && (forall s | s in caps && caps[s].next.None? :: s !in first)
    && log.Keys <= first.Keys
  }

  /** A queued row is on a live stream and was never finalized. */
  ghost predicate QueueKept(queue: map<Uuid, Plaintext>, sent: set<Uuid>, caps: map<Uuid, WriteCap>) {
    forall p | p in queue :: p !in sent && queue[p].stream in caps
  }

  /** The row in flight on a live stream seals a queued row at the cursor. */
  ghost predicate FlightKept(inFlight: map<Uuid, Envelope>, queue: map<Uuid, Plaintext>,
                             caps: map<Uuid, WriteCap>, claims: map<Box, Item>) {
    forall s | s in inFlight :: FlightRowKept(s, inFlight[s], queue, caps, claims)
  }

  ghost predicate FlightRowKept(s: Uuid, e: Envelope, queue: map<Uuid, Plaintext>,
                                caps: map<Uuid, WriteCap>, claims: map<Box, Item>) {
    && e.next == e.current + 1
    && Box(s, e.current) in claims
    && claims[Box(s, e.current)] == Item(e.plaintext, e.sealed)
    && (e.plaintext in queue <==> s in caps)
    && (s in caps ==>
          && queue[e.plaintext].stream == s
          && queue[e.plaintext].payload == e.sealed
          && caps[s].next == Some(e.current))
  }

  /** A stream being sealed for has no row in flight, and its index is unclaimed. */
  ghost predicate SealingKept(sealing: map<Uuid, Sealing>, inFlight: map<Uuid, Envelope>,
                              queue: map<Uuid, Plaintext>, caps: map<Uuid, WriteCap>,
                              first: map<Uuid, nat>, claims: map<Box, Item>) {
    forall s | s in sealing ::
      && s !in inFlight
      && SealingTaskKept(s, sealing[s], queue, caps)
      && (sealing[s].at.Some? ==>
            s in first && first[s] <= sealing[s].at.value && Box(s, sealing[s].at.value) !in claims)
  }

  ghost predicate SealingTaskKept(s: Uuid, z: Sealing, queue: map<Uuid, Plaintext>, caps: map<Uuid, WriteCap>) {
    && (z.plaintext in queue <==> s in caps)
    && (s in caps ==>
          && queue[z.plaintext].stream == s
          && queue[z.plaintext].payload == z.payload
          && caps[s].next.Some?
          && (z.at.Some? ==> caps[s].next == z.at))
  }

  /** A claimed box of a live stream is below the cursor or in flight. */
  ghost predicate ClaimsKept(claims: map<Box, Item>, inFlight: map<Uuid, Envelope>, caps: map<Uuid, WriteCap>,
                             first: map<Uuid, nat>, log: map<Uuid, seq<Item>>) {
    forall b | b in claims ::
      && b.stream in first && first[b.stream] <= b.index
      && (b.stream in caps ==>
            b.index < first[b.stream] + |LogOf(log, b.stream)|
            || (b.stream in inFlight && inFlight[b.stream].current == b.index))
  }

  /** Whoever cast a box cast what it was claimed for. */
  ghost predicate MixnetKept(cast: set<Cast>, delivered: set<Cast>, written: map<Box, Bytes>,
                             claims: map<Box, Item>) {
    && (forall c | c in cast :: c.box in claims && claims[c.box] == c.item)
    && delivered <= cast
    && (forall c | c in delivered :: c.box in written && written[c.box] == c.item.payload)
  }

  /** A drain whose plaintext is still queued has the row in flight. */
  ghost predicate DrainsKept(drains: set<Drain>, inFlight: map<Uuid, Envelope>, queue: map<Uuid, Plaintext>,
                             claims: map<Box, Item>) {
    forall d | d in drains ::
      && d.row.next == d.row.current + 1
      && DrainCast(d).box in claims && claims[DrainCast(d).box] == DrainCast(d).item
      && (d.row.plaintext in queue ==> d.stream in inFlight && inFlight[d.stream].id == d.row.id)
      && (d.stream in inFlight && inFlight[d.stream].id == d.row.id ==>
            DrainCast(d) == DrainCast(Drain(d.stream, inFlight[d.stream], Loaded)))
  }

  /** What a drain learned of the cursor is not past where the cursor is now. */
  ghost predicate PhasesKept(drains: set<Drain>, first: map<Uuid, nat>, log: map<Uuid, seq<Item>>,
                             delivered: set<Cast>) {
    forall d | d in drains ::
      && (d.phase.Prechecked? ==> DrainCast(d) in delivered)
      && (d.phase.Prechecked? && d.phase.realNext.Some? ==>
            d.stream in first && d.phase.realNext.value <= first[d.stream] + |LogOf(log, d.stream)|)
      && (d.phase.Reminting? ==> d.phase.payload == d.row.sealed)
  }

  /** Every plaintext finalized is in exactly one place of one log, and the box
      of that place was delivered with it. */
  ghost predicate LogKept(log: map<Uuid, seq<Item>>, landed: map<Uuid, Box>, first: map<Uuid, nat>,
                          delivered: set<Cast>) {
    && log.Keys <= first.Keys
    && (forall p | p in landed ::
          landed[p].stream in log && InLog(p, landed[p], log[landed[p].stream], first[landed[p].stream]))
    && (forall s | s in log :: EntriesKept(s, log[s], first[s], landed, delivered))
  }

  /** `p` is the entry of its stream's log that its box says. */
  ghost predicate InLog(p: Uuid, b: Box, entries: seq<Item>, first: nat) {
    0 <= b.index - first < |entries| && entries[b.index - first].id == p
  }

  ghost predicate EntriesKept(s: Uuid, entries: seq<Item>, first: nat, landed: map<Uuid, Box>,
                              delivered: set<Cast>) {
    forall k | 0 <= k < |entries| ::
      && entries[k].id in landed
      && landed[entries[k].id] == Box(s, first + k)
      && Cast(Box(s, first + k), entries[k]) in delivered
  }

  ghost predicate Inv(w: World) {
    && UsedKept(w.t, w.sealing, w.drains, w.first, w.claims, w.used)
    && CursorsKept(w.t.writeCaps, w.first, w.log)
    && QueueKept(w.t.queue, w.t.sent, w.t.writeCaps)
    && FlightKept(w.t.inFlight, w.t.queue, w.t.writeCaps, w.claims)
    && SealingKept(w.sealing, w.t.inFlight, w.t.queue, w.t.writeCaps, w.first, w.claims)
    && ClaimsKept(w.claims, w.t.inFlight, w.t.writeCaps, w.first, w.log)
    && MixnetKept(w.cast, w.delivered, w.written, w.claims)
    && DrainsKept(w.drains, w.t.inFlight, w.t.queue, w.claims)
    && PhasesKept(w.drains, w.first, w.log, w.delivered)
    && LogKept(w.log, w.landed, w.first, w.delivered)
    && w.landed.Keys == w.t.sent
  }

  lemma StartKept()
    ensures Inv(START)
  {}

  lemma OpenStreamKept(w: World, s: Uuid, rcw: Uuid)
    requires Inv(w) && s !in w.used && rcw !in w.used
    ensures Inv(StreamOpened(w, s, rcw))
  {
    hide CursorsKept, FlightKept, SealingKept, ClaimsKept, MixnetKept, DrainsKept, PhasesKept, LogKept;
    var caps := StreamOpened(w, s, rcw).t.writeCaps;
    NewStream(w.t.inFlight, w.t.writeCaps, w.claims, w.first, w.log, s);
    GrownRows(w.t.inFlight, w.t.queue, w.t.queue, w.t.writeCaps, caps, w.claims, w.used);
    GrownSealing(w.sealing, w.t.inFlight, w.t.queue, w.t.queue, w.t.writeCaps, caps, w.first, w.claims, w.used);
  }

  // Provisioning gives a stream that nothing was sealed for its first index.

  lemma ProvisionCapsKept(w: World, rcw: Uuid, index: nat, cap: Bytes)
    requires Inv(w) && CanQueue(w, ProvisionCaps(rcw, index, cap))
    ensures Inv(CapsProvisioned(w, rcw, index, cap))
  {
    var s := w.t.readCaps[rcw].writeCap.value;
    assert w.t.writeCaps[s].next.None?;
    ProvisionRows(w.t.inFlight, w.t.queue, w.t.writeCaps, w.claims, s, index);
    ProvisionSealing(w.sealing, w.t.inFlight, w.t.queue, w.t.writeCaps, w.first, w.claims, s, index);
    ProvisionClaims(w.claims, w.t.inFlight, w.t.writeCaps, w.first, w.log, s, index);
    ProvisionPhases(w.drains, w.first, w.log, w.delivered, s, index);
    ProvisionLog(w.log, w.landed, w.first, w.delivered, s, index);
  }

  lemma ProvisionRows(inFlight: map<Uuid, Envelope>, queue: map<Uuid, Plaintext>, caps: map<Uuid, WriteCap>,
                      claims: map<Box, Item>, s: Uuid, index: nat)
    requires FlightKept(inFlight, queue, caps, claims) && s in caps && caps[s].next.None?
    ensures FlightKept(inFlight, queue, caps[s := caps[s].(next := Some(index))], claims)
  {}

  lemma ProvisionSealing(sealing: map<Uuid, Sealing>, inFlight: map<Uuid, Envelope>, queue: map<Uuid, Plaintext>,
                         caps: map<Uuid, WriteCap>, first: map<Uuid, nat>, claims: map<Box, Item>, s: Uuid, index: nat)
    requires SealingKept(sealing, inFlight, queue, caps, first, claims)
    requires s in caps && caps[s].next.None? && s !in first
    ensures SealingKept(sealing, inFlight, queue, caps[s := caps[s].(next := Some(index))], first[s := index], claims)
  {}

  lemma ProvisionClaims(claims: map<Box, Item>, inFlight: map<Uuid, Envelope>, caps: map<Uuid, WriteCap>,
                        first: map<Uuid, nat>, log: map<Uuid, seq<Item>>, s: Uuid, index: nat)
    requires ClaimsKept(claims, inFlight, caps, first, log) && s !in first
    requires s in caps
    ensures ClaimsKept(claims, inFlight, caps[s := caps[s].(next := Some(index))], first[s := index], log)
  {}

  lemma ProvisionPhases(drains: set<Drain>, first: map<Uuid, nat>, log: map<Uuid, seq<Item>>,
                        delivered: set<Cast>, s: Uuid, index: nat)
    requires PhasesKept(drains, first, log, delivered) && s !in first
    ensures PhasesKept(drains, first[s := index], log, delivered)
  {}

  lemma ProvisionLog(log: map<Uuid, seq<Item>>, landed: map<Uuid, Box>, first: map<Uuid, nat>,
                     delivered: set<Cast>, s: Uuid, index: nat)
    requires LogKept(log, landed, first, delivered) && s !in first
    ensures LogKept(log, landed, first[s := index], delivered)
  {}

  lemma EnqueueBoxKept(w: World, id: Uuid, s: Uuid, payload: Bytes)
    requires Inv(w) && id !in w.used && s in w.t.writeCaps
    ensures Inv(BoxEnqueued(w, id, s, payload))
  {
    hide CursorsKept, FlightKept, SealingKept, ClaimsKept, MixnetKept, DrainsKept, PhasesKept, LogKept;
    var queue := BoxEnqueued(w, id, s, payload).t.queue;
    GrownRows(w.t.inFlight, w.t.queue, queue, w.t.writeCaps, w.t.writeCaps, w.claims, w.used);
    GrownSealing(w.sealing, w.t.inFlight, w.t.queue, queue, w.t.writeCaps, w.t.writeCaps, w.first, w.claims, w.used);
    GrownDrains(w.drains, w.t.inFlight, w.t.queue, queue, w.claims, w.used);
  }

  // New rows are on live streams and unknown to every task.

  ghost predicate Queueable(w: World, agg: Uuid, u: Upload) {
    && |u.chunks| == |u.payloads| > 0 && FreshUpload(w, agg, u.chunks, u.rcw, u.release)
    && u.main in w.t.writeCaps && u.main !in w.uploads && !u.cancelled
  }

  lemma EnqueueChunksKept(w: World, agg: Uuid, u: Upload)
    requires Inv(w) && Queueable(w, agg, u)
    ensures Inv(ChunksEnqueued(w, agg, u))
  {
    var w' := ChunksEnqueued(w, agg, u);
    EnqueuedRows(w.t.queue, agg, u, w.used);
    EnqueuedUsed(w, agg, u);
    GrownQueue(w.t.queue, w'.t.queue, w.t.sent, w.t.writeCaps, agg, u.main);
    GrownDrains(w.drains, w.t.inFlight, w.t.queue, w'.t.queue, w.claims, w.used);
    GrownRows(w.t.inFlight, w.t.queue, w'.t.queue, w.t.writeCaps, w'.t.writeCaps, w.claims, w.used);
    GrownSealing(w.sealing, w.t.inFlight, w.t.queue, w'.t.queue, w.t.writeCaps, w'.t.writeCaps, w.first, w.claims,
                 w.used);
    NewStream(w.t.inFlight, w.t.writeCaps, w.claims, w.first, w.log, agg);
  }

  /** Where `p` is among the chunks still to be sent. */
  ghost predicate Pending(u: Upload, done: nat, p: Uuid) {
    exists k :: done <= k < |u.chunks| && u.chunks[k] == p
  }

  function ReleaseRow(agg: Uuid, u: Upload): Plaintext {
    Plaintext(None, Some(agg), u.main, [], Some(u.rcw))
  }

  /** The queue with an upload's rows: the old rows, the chunks, the indirection. */
  lemma EnqueuedRows(queue: map<Uuid, Plaintext>, agg: Uuid, u: Upload, used: set<Uuid>)
    requires |u.chunks| == |u.payloads| && Distinct(u.chunks) && queue.Keys <= used
    requires forall k | 0 <= k < |u.chunks| :: u.chunks[k] !in used && u.chunks[k] != u.release
    requires u.release !in used
    ensures
      var queue' := queue + ChunkRows(agg, u.chunks, u.payloads) + map[u.release := ReleaseRow(agg, u)];
      && (forall p | p in queue :: p in queue' && queue'[p] == queue[p])
      && u.release in queue' && queue'[u.release] == ReleaseRow(agg, u)
      && (forall k | 0 <= k < |u.chunks| ::
            u.chunks[k] in queue' && queue'[u.chunks[k]] == ChunkRow(agg, u.chunks, u.payloads, k))
      && (forall p | p in queue' && p !in queue && p != u.release ::
            Pending(u, 0, p) && queue'[p].stream == agg && queue'[p].indirection.None? && p !in used)
  {
    ChunkRowsAre(agg, u);
    RowsMerged(queue, ChunkRows(agg, u.chunks, u.payloads), agg, u, used);
  }

  lemma ChunkRowsAre(agg: Uuid, u: Upload)
    requires |u.chunks| == |u.payloads| && Distinct(u.chunks)
    ensures
      var rows := ChunkRows(agg, u.chunks, u.payloads);
      && (forall k | 0 <= k < |u.chunks| ::
            u.chunks[k] in rows && rows[u.chunks[k]] == ChunkRow(agg, u.chunks, u.payloads, k))
      && (forall p | p in rows :: Pending(u, 0, p))
  {
    var rows := ChunkRows(agg, u.chunks, u.payloads);
    forall k | 0 <= k < |u.chunks|
      ensures u.chunks[k] in rows && rows[u.chunks[k]] == ChunkRow(agg, u.chunks, u.payloads, k)
    {}
  }

  lemma RowsMerged(queue: map<Uuid, Plaintext>, rows: map<Uuid, Plaintext>, agg: Uuid, u: Upload, used: set<Uuid>)
    requires |u.chunks| == |u.payloads| && queue.Keys <= used && u.release !in used
    requires forall k | 0 <= k < |u.chunks| :: u.chunks[k] !in used && u.chunks[k] != u.release
    requires forall k | 0 <= k < |u.chunks| ::
        u.chunks[k] in rows && rows[u.chunks[k]] == ChunkRow(agg, u.chunks, u.payloads, k)
    requires forall p | p in rows :: Pending(u, 0, p)
    ensures
      var queue' := queue + rows + map[u.release := ReleaseRow(agg, u)];
      && (forall p | p in queue :: p in queue' && queue'[p] == queue[p])
      && u.release in queue' && queue'[u.release] == ReleaseRow(agg, u)
      && (forall k | 0 <= k < |u.chunks| ::
            u.chunks[k] in queue' && queue'[u.chunks[k]] == ChunkRow(agg, u.chunks, u.payloads, k))
      && (forall p | p in queue' && p !in queue && p != u.release ::
            Pending(u, 0, p) && queue'[p].stream == agg && queue'[p].indirection.None? && p !in used)
  {}

  lemma EnqueuedUsed(w: World, agg: Uuid, u: Upload)
    requires UsedKept(w.t, w.sealing, w.drains, w.first, w.claims, w.used) && Queueable(w, agg, u)
    ensures
      var w' := ChunksEnqueued(w, agg, u);
      UsedKept(w'.t, w'.sealing, w'.drains, w'.first, w'.claims, w'.used)
  {}

  lemma GrownQueue(queue: map<Uuid, Plaintext>, queue': map<Uuid, Plaintext>, sent: set<Uuid>,
                   caps: map<Uuid, WriteCap>, agg: Uuid, s: Uuid)
    requires QueueKept(queue, sent, caps) && s in caps
    requires forall p | p in queue :: p in queue' && queue'[p] == queue[p]
    requires forall p | p in queue' && p !in queue :: p !in sent && (queue'[p].stream == agg || queue'[p].stream == s)
    ensures QueueKept(queue', sent, caps[agg := WriteCap(None, false)])
  {}

  lemma GrownDrains(drains: set<Drain>, inFlight: map<Uuid, Envelope>, queue: map<Uuid, Plaintext>,
                    queue': map<Uuid, Plaintext>, claims: map<Box, Item>, used: set<Uuid>)
    requires DrainsKept(drains, inFlight, queue, claims)
    requires forall p | p in used :: p in queue <==> p in queue'
    requires forall d | d in drains :: d.row.plaintext in used
    ensures DrainsKept(drains, inFlight, queue', claims)
  {}

  lemma NewStream(inFlight: map<Uuid, Envelope>, caps: map<Uuid, WriteCap>, claims: map<Box, Item>,
                  first: map<Uuid, nat>, log: map<Uuid, seq<Item>>, agg: Uuid)
    requires agg !in first && CursorsKept(caps, first, log) && ClaimsKept(claims, inFlight, caps, first, log)
    ensures CursorsKept(caps[agg := WriteCap(None, false)], first, log)
    ensures ClaimsKept(claims, inFlight, caps[agg := WriteCap(None, false)], first, log)
  {}

  lemma GrownRows(inFlight: map<Uuid, Envelope>, queue: map<Uuid, Plaintext>, queue': map<Uuid, Plaintext>,
                  caps: map<Uuid, WriteCap>, caps': map<Uuid, WriteCap>, claims: map<Box, Item>, used: set<Uuid>)
    requires FlightKept(inFlight, queue, caps, claims)
    requires forall p | p in used :: (p in queue <==> p in queue') && (p in queue ==> queue[p] == queue'[p])
    requires forall s | s in used :: (s in caps <==> s in caps') && (s in caps ==> caps[s] == caps'[s])
    requires forall s | s in inFlight :: s in used && inFlight[s].plaintext in used
    ensures FlightKept(inFlight, queue', caps', claims)
  {}

  lemma GrownSealing(sealing: map<Uuid, Sealing>, inFlight: map<Uuid, Envelope>,
                     queue: map<Uuid, Plaintext>, queue': map<Uuid, Plaintext>,
                     caps: map<Uuid, WriteCap>, caps': map<Uuid, WriteCap>,
                     first: map<Uuid, nat>, claims: map<Box, Item>, used: set<Uuid>)
    requires SealingKept(sealing, inFlight, queue, caps, first, claims)
    requires forall p | p in used :: (p in queue <==> p in queue') && (p in queue ==> queue[p] == queue'[p])
    requires forall s | s in used :: (s in caps <==> s in caps') && (s in caps ==> caps[s] == caps'[s])
    requires forall s | s in sealing :: s in used && sealing[s].plaintext in used
    ensures SealingKept(sealing, inFlight, queue', caps', first, claims)
  {}

  // Filling in a payload touches only a row that nothing has sealed.

  lemma DispatchKept(w: World, id: Uuid)
    requires Inv(w) && Eligible(w.t, w.sealing.Keys, id) && ToSeal(w.t, id).Some?
    ensures Inv(Dispatched(w, id))
  {
    var payload := ToSeal(w.t, id).value;
    var queue := w.t.queue[id := w.t.queue[id].(payload := payload)];
    FilledRows(w.t.inFlight, w.t.queue, queue, w.t.writeCaps, w.claims, id);
    FilledSealing(w.sealing, w.t.inFlight, w.t.queue, queue, w.t.writeCaps, w.first, w.claims, id);
  }

  lemma FilledRows(inFlight: map<Uuid, Envelope>, queue: map<Uuid, Plaintext>, queue': map<Uuid, Plaintext>,
                   caps: map<Uuid, WriteCap>, claims: map<Box, Item>, id: Uuid)
    requires FlightKept(inFlight, queue, caps, claims)
    requires id in queue && id in queue'
    requires queue[id].stream !in inFlight && queue[id].stream in caps
    requires queue' == queue[id := queue[id].(payload := queue'[id].payload)]
    ensures FlightKept(inFlight, queue', caps, claims)
  {}

  lemma FilledSealing(sealing: map<Uuid, Sealing>, inFlight: map<Uuid, Envelope>,
                      queue: map<Uuid, Plaintext>, queue': map<Uuid, Plaintext>,
                      caps: map<Uuid, WriteCap>, first: map<Uuid, nat>, claims: map<Box, Item>, id: Uuid)
    requires SealingKept(sealing, inFlight, queue, caps, first, claims)
    requires id in queue && id in queue'
    requires queue[id].stream !in inFlight && queue[id].stream !in sealing
    requires queue[id].stream in caps && caps[queue[id].stream].next.Some?
    requires queue' == queue[id := queue[id].(payload := queue'[id].payload)]
    ensures SealingKept(sealing[queue[id].stream := Sealing(id, queue'[id].payload, None)],
                        inFlight, queue', caps, first, claims)
  {}

  lemma ReadCursorKept(w: World, s: Uuid)
    requires Inv(w) && s in w.sealing && w.sealing[s].at.None? && s in w.t.writeCaps
    ensures Inv(w.(sealing := w.sealing[s := w.sealing[s].(at := w.t.writeCaps[s].next)]))
  {}

  lemma SealingFailsKept(w: World, s: Uuid)
    requires Inv(w)
    ensures Inv(w.(sealing := w.sealing - {s}))
  {}

  lemma LoadDrainKept(w: World, s: Uuid)
    requires Inv(w) && s in w.t.inFlight
    ensures Inv(w.(drains := w.drains + {Drain(s, w.t.inFlight[s], Loaded)}))
  {
    hide CursorsKept, QueueKept, SealingKept, ClaimsKept, MixnetKept, LogKept;
    assert FlightRowKept(s, w.t.inFlight[s], w.t.queue, w.t.writeCaps, w.claims);
  }

  lemma CastDrainKept(w: World, d: Drain)
    requires Inv(w) && d in w.drains
    ensures Inv(w.(cast := w.cast + {DrainCast(d)}))
  {}

  lemma DeliverKept(w: World, c: Cast)
    requires Inv(w) && c in w.cast
    ensures Inv(w.(delivered := w.delivered + {c}, written := w.written[c.box := c.item.payload]))
  {}

  lemma PrecheckAckKept(w: World, d: Drain)
    requires Inv(w) && d in w.drains && DrainCast(d) in w.delivered
    ensures Inv(w.(drains := w.drains + {d.(phase := Prechecked(Precheck(w.t, d.stream)))}))
  {
    hide QueueKept, FlightKept, SealingKept, ClaimsKept, MixnetKept, LogKept;
  }

  lemma CrashKept(w: World)
    requires Inv(w)
    ensures Inv(w.(sealing := map[], drains := {}))
  {}

  // A committed envelope claims the index the cursor is at.

  lemma CommitEnvelopeKept(w: World, s: Uuid, id: Uuid, hash: nat)
    requires Inv(w) && s in w.sealing && w.sealing[s].at.Some? && id !in w.used
    ensures Inv(Committed(w, s, id, hash))
  {
    var z := w.sealing[s];
    var e := SealedRow(z, id, hash);
    assert s !in w.t.inFlight && SealingTaskKept(s, z, w.t.queue, w.t.writeCaps);
    CommittedRows(w.t.inFlight, w.t.queue, w.t.writeCaps, w.claims, s, e);
    CommittedSealing(w.sealing, w.t.inFlight, w.t.queue, w.t.writeCaps, w.first, w.claims, s, e);
    CommittedClaims(w.claims, w.t.inFlight, w.t.writeCaps, w.first, w.log, s, e);
    CommittedDrains(w.drains, w.t.inFlight, w.t.queue, w.claims, s, e);
    CommittedMixnet(w.cast, w.delivered, w.written, w.claims, Box(s, e.current), Item(e.plaintext, e.sealed));
    CommittedUsed(w, s, e);
  }

  lemma CommittedUsed(w: World, s: Uuid, e: Envelope)
    requires UsedKept(w.t, w.sealing, w.drains, w.first, w.claims, w.used) && s in w.sealing
    requires e.plaintext == w.sealing[s].plaintext
    ensures UsedKept(w.t.(inFlight := w.t.inFlight[s := e]), w.sealing - {s}, w.drains, w.first,
                     w.claims[Box(s, e.current) := Item(e.plaintext, e.sealed)], w.used + {e.id})
  {}

  lemma CommittedMixnet(cast: set<Cast>, delivered: set<Cast>, written: map<Box, Bytes>, claims: map<Box, Item>,
                        b: Box, item: Item)
    requires MixnetKept(cast, delivered, written, claims) && b !in claims
    ensures MixnetKept(cast, delivered, written, claims[b := item])
  {}

  lemma CommittedRows(inFlight: map<Uuid, Envelope>, queue: map<Uuid, Plaintext>, caps: map<Uuid, WriteCap>,
                      claims: map<Box, Item>, s: Uuid, e: Envelope)
    requires FlightKept(inFlight, queue, caps, claims) && Box(s, e.current) !in claims
    requires FlightRowKept(s, e, queue, caps, claims[Box(s, e.current) := Item(e.plaintext, e.sealed)])
    ensures FlightKept(inFlight[s := e], queue, caps, claims[Box(s, e.current) := Item(e.plaintext, e.sealed)])
  {}

  lemma CommittedSealing(sealing: map<Uuid, Sealing>, inFlight: map<Uuid, Envelope>, queue: map<Uuid, Plaintext>,
                         caps: map<Uuid, WriteCap>, first: map<Uuid, nat>, claims: map<Box, Item>,
                         s: Uuid, e: Envelope)
    requires SealingKept(sealing, inFlight, queue, caps, first, claims)
    ensures SealingKept(sealing - {s}, inFlight[s := e], queue, caps, first,
                        claims[Box(s, e.current) := Item(e.plaintext, e.sealed)])
  {}

  lemma CommittedClaims(claims: map<Box, Item>, inFlight: map<Uuid, Envelope>, caps: map<Uuid, WriteCap>,
                        first: map<Uuid, nat>, log: map<Uuid, seq<Item>>, s: Uuid, e: Envelope)
    requires ClaimsKept(claims, inFlight, caps, first, log)
    requires s !in inFlight && s in first && first[s] <= e.current
    ensures ClaimsKept(claims[Box(s, e.current) := Item(e.plaintext, e.sealed)], inFlight[s := e], caps, first, log)
  {}

  lemma CommittedDrains(drains: set<Drain>, inFlight: map<Uuid, Envelope>, queue: map<Uuid, Plaintext>,
                        claims: map<Box, Item>, s: Uuid, e: Envelope)
    requires DrainsKept(drains, inFlight, queue, claims) && s !in inFlight
    requires Box(s, e.current) !in claims && forall d | d in drains :: d.row.id != e.id
    ensures DrainsKept(drains, inFlight[s := e], queue, claims[Box(s, e.current) := Item(e.plaintext, e.sealed)])
  {}

  // A row is dropped only when its plaintext is gone, so its stream is dead.

  lemma DropKept(w: World, d: Drain)
    requires Inv(w) && d in w.drains && d.row.plaintext !in w.t.queue
    ensures Inv(w.(t := DropRow(w.t, d.stream, d.row.id)))
  {
    hide CursorsKept, QueueKept, SealingKept, ClaimsKept, MixnetKept, PhasesKept, LogKept;
    var s := d.stream;
    if HasRow(w.t, s, d.row.id) {
      assert DrainCast(d) == DrainCast(Drain(s, w.t.inFlight[s], Loaded));
      assert FlightRowKept(s, w.t.inFlight[s], w.t.queue, w.t.writeCaps, w.claims);
      DroppedTasks(w.sealing, w.t.inFlight, w.t.queue, w.t.writeCaps, w.first, w.claims, s);
      DroppedClaims(w.claims, w.t.inFlight, w.t.writeCaps, w.first, w.log, s);
      DroppedDrains(w.drains, w.t.inFlight, w.t.queue, w.claims, s);
    }
  }

  lemma DroppedTasks(sealing: map<Uuid, Sealing>, inFlight: map<Uuid, Envelope>, queue: map<Uuid, Plaintext>,
                     caps: map<Uuid, WriteCap>, first: map<Uuid, nat>, claims: map<Box, Item>, s: Uuid)
    requires SealingKept(sealing, inFlight, queue, caps, first, claims) && FlightKept(inFlight, queue, caps, claims)
    ensures SealingKept(sealing, inFlight - {s}, queue, caps, first, claims)
    ensures FlightKept(inFlight - {s}, queue, caps, claims)
  {}

  lemma DroppedClaims(claims: map<Box, Item>, inFlight: map<Uuid, Envelope>, caps: map<Uuid, WriteCap>,
                      first: map<Uuid, nat>, log: map<Uuid, seq<Item>>, s: Uuid)
    requires ClaimsKept(claims, inFlight, caps, first, log) && s !in caps
    ensures ClaimsKept(claims, inFlight - {s}, caps, first, log)
  {}

  lemma DroppedDrains(drains: set<Drain>, inFlight: map<Uuid, Envelope>, queue: map<Uuid, Plaintext>,
                      claims: map<Box, Item>, s: Uuid)
    requires DrainsKept(drains, inFlight, queue, claims) && s in inFlight && inFlight[s].plaintext !in queue
    ensures DrainsKept(drains, inFlight - {s}, queue, claims)
  {}

  lemma VerifyDrainKept(w: World, d: Drain, phase: Phase)
    requires Inv(w) && d in w.drains
    requires d.row.plaintext in w.t.queue ==>
               phase.Ready? || phase == Reminting(w.t.queue[d.row.plaintext].payload)
    ensures Inv(Verified(w, d, phase))
  {
    if d.row.plaintext !in w.t.queue {
      DropKept(w, d);
    } else {
      QueuedDrainMatches(w, d);
      PhaseAdded(w, d, phase);
    }
  }

  lemma PhaseAdded(w: World, d: Drain, phase: Phase)
    requires Inv(w) && d in w.drains && (phase.Ready? || phase == Reminting(d.row.sealed))
    ensures Inv(w.(drains := w.drains + {d.(phase := phase)}))
  {
    hide CursorsKept, QueueKept, FlightKept, SealingKept, ClaimsKept, MixnetKept, LogKept;
  }

  /** A drain whose plaintext is queued has that row in flight, at the cursor
      of a live stream, sealing the row's payload. */
  lemma QueuedDrainMatches(w: World, d: Drain)
    requires Inv(w) && d in w.drains && d.row.plaintext in w.t.queue
    ensures HasRow(w.t, d.stream, d.row.id)
    ensures d.stream in w.t.writeCaps && d.stream in w.first
    ensures w.t.writeCaps[d.stream].next == Some(d.row.current)
    ensures d.row.current == w.first[d.stream] + |Log(w, d.stream)|
    ensures w.t.queue[d.row.plaintext].stream == d.stream
    ensures w.t.queue[d.row.plaintext].payload == d.row.sealed
  {}

  lemma WriteRemintKept(w: World, d: Drain, hash: nat)
    requires Inv(w) && d in w.drains && d.phase.Reminting?
    ensures Inv(w.(t := Remint(w.t, d.stream, d.row.id, hash, d.phase.payload)))
  {
    if HasRow(w.t, d.stream, d.row.id) {
      var row := w.t.inFlight[d.stream];
      assert FlightRowKept(d.stream, row, w.t.queue, w.t.writeCaps, w.claims);
      assert DrainCast(d) == DrainCast(Drain(d.stream, row, Loaded));
      RehashedRows(w.t.inFlight, w.t.queue, w.t.writeCaps, w.claims, d.stream, hash);
      RehashedDrains(w.drains, w.t.inFlight, w.t.queue, w.claims, d.stream, hash);
      RehashedClaims(w.claims, w.t.inFlight, w.t.writeCaps, w.first, w.log, d.stream, hash);
      var inFlight := w.t.inFlight[d.stream := row.(hash := hash)];
      assert Remint(w.t, d.stream, d.row.id, hash, d.phase.payload) == w.t.(inFlight := inFlight);
    }
  }

  lemma RehashedRows(inFlight: map<Uuid, Envelope>, queue: map<Uuid, Plaintext>, caps: map<Uuid, WriteCap>,
                     claims: map<Box, Item>, s: Uuid, hash: nat)
    requires FlightKept(inFlight, queue, caps, claims) && s in inFlight
    ensures FlightKept(inFlight[s := inFlight[s].(hash := hash)], queue, caps, claims)
  {}

  lemma RehashedDrains(drains: set<Drain>, inFlight: map<Uuid, Envelope>, queue: map<Uuid, Plaintext>,
                       claims: map<Box, Item>, s: Uuid, hash: nat)
    requires DrainsKept(drains, inFlight, queue, claims) && s in inFlight
    ensures DrainsKept(drains, inFlight[s := inFlight[s].(hash := hash)], queue, claims)
  {}

  lemma RehashedClaims(claims: map<Box, Item>, inFlight: map<Uuid, Envelope>, caps: map<Uuid, WriteCap>,
                       first: map<Uuid, nat>, log: map<Uuid, seq<Item>>, s: Uuid, hash: nat)
    requires ClaimsKept(claims, inFlight, caps, first, log) && s in inFlight
    ensures ClaimsKept(claims, inFlight[s := inFlight[s].(hash := hash)], caps, first, log)
  {}

  lemma SetPausedKept(w: World, s: Uuid, paused: bool)
    requires Inv(w) && s in w.t.writeCaps
    ensures Inv(w.(t := w.t.(writeCaps := w.t.writeCaps[s := w.t.writeCaps[s].(paused := paused)])))
  {
    var caps := w.t.writeCaps[s := w.t.writeCaps[s].(paused := paused)];
    PausedTasks(w.t.inFlight, w.sealing, w.t.queue, w.t.writeCaps, caps, w.first, w.claims);
    PausedCursors(w.t.queue, w.t.sent, w.claims, w.t.inFlight, w.t.writeCaps, caps, w.first, w.log);
  }

  /** The cursors of two versions of the write caps are the same. */
  ghost predicate SameCursors(caps: map<Uuid, WriteCap>, caps': map<Uuid, WriteCap>) {
    caps'.Keys == caps.Keys && forall s | s in caps :: caps'[s].next == caps[s].next
  }

  lemma PausedTasks(inFlight: map<Uuid, Envelope>, sealing: map<Uuid, Sealing>, queue: map<Uuid, Plaintext>,
                    caps: map<Uuid, WriteCap>, caps': map<Uuid, WriteCap>, first: map<Uuid, nat>,
                    claims: map<Box, Item>)
    requires SameCursors(caps, caps')
    ensures FlightKept(inFlight, queue, caps, claims) ==> FlightKept(inFlight, queue, caps', claims)
    ensures SealingKept(sealing, inFlight, queue, caps, first, claims) ==>
              SealingKept(sealing, inFlight, queue, caps', first, claims)
  {}

  lemma PausedCursors(queue: map<Uuid, Plaintext>, sent: set<Uuid>, claims: map<Box, Item>,
                      inFlight: map<Uuid, Envelope>, caps: map<Uuid, WriteCap>, caps': map<Uuid, WriteCap>,
                      first: map<Uuid, nat>, log: map<Uuid, seq<Item>>)
    requires SameCursors(caps, caps')
    ensures CursorsKept(caps, first, log) ==> CursorsKept(caps', first, log)
    ensures QueueKept(queue, sent, caps) ==> QueueKept(queue, sent, caps')
    ensures ClaimsKept(claims, inFlight, caps, first, log) ==> ClaimsKept(claims, inFlight, caps', first, log)
  {}

  // Finalizing: the stale path never finds its plaintext queued; the normal
  // path finds it exactly when it moves the cursor on.

  lemma FinalizeAckKept(w: World, d: Drain)
    requires Inv(w) && d in w.drains && d.phase.Prechecked?
    ensures Inv(Finalized(w, d))
  {
    if d.row.plaintext !in w.t.queue {
      DropKept(w, d);
      FinalizedAgain(w, d);
    } else {
      MarkSentKept(w, d);
    }
  }

  /** Finalizing again, on either path, only cleans up. */
  lemma FinalizedAgain(w: World, d: Drain)
    requires d.phase.Prechecked? && d.row.plaintext !in w.t.queue
    ensures Finalized(w, d) == w.(t := DropRow(w.t, d.stream, d.row.id))
  {}

  lemma NotStale(w: World, d: Drain)
    requires Inv(w) && d in w.drains && d.phase.Prechecked? && d.row.plaintext in w.t.queue
    ensures !Stale(d.phase.realNext, d.row)
  {}

  lemma MarkSentKept(w: World, d: Drain)
    requires Inv(w) && d in w.drains && d.phase.Prechecked? && d.row.plaintext in w.t.queue
    ensures Inv(Finalized(w, d))
  {
    NotStale(w, d);
    QueuedDrainMatches(w, d);
    assert DrainCast(d) == DrainCast(Drain(d.stream, w.t.inFlight[d.stream], Loaded));
    FinalizedSent(w, d);
    SentKept(w, d.stream, d.row);
  }

  lemma FinalizedSent(w: World, d: Drain)
    requires d.phase.Prechecked? && d.row.plaintext in w.t.queue && !Stale(d.phase.realNext, d.row)
    requires d.stream in w.t.writeCaps && d.stream in w.first && HasRow(w.t, d.stream, d.row.id)
    requires d.row.current == w.first[d.stream] + |Log(w, d.stream)|
    requires w.t.queue[d.row.plaintext].payload == d.row.sealed
    ensures Finalized(w, d) == Sent(w, d.stream, d.row)
  {}

  /** The world once the row in flight on `s` is finalized. */
  function Sent(w: World, s: Uuid, e: Envelope): World
    requires s in w.t.writeCaps && s in w.first
  {
    var item := Item(e.plaintext, e.sealed);
    w.(t := Tables(w.t.queue - {item.id}, w.t.inFlight - {s}, w.t.sent + {item.id},
                   w.t.writeCaps[s := w.t.writeCaps[s].(next := Some(e.next))], w.t.readCaps),
       log := w.log[s := LogOf(w.log, s) + [item]],
       landed := w.landed[item.id := Box(s, w.first[s] + |LogOf(w.log, s)|)])
  }

  ghost predicate Sendable(w: World, s: Uuid, e: Envelope) {
    && s in w.t.inFlight && s in w.t.writeCaps && s in w.first
    && e.plaintext in w.t.queue && w.t.queue[e.plaintext].stream == s
    && w.t.inFlight[s].plaintext == e.plaintext && w.t.inFlight[s].current == e.current
    && w.t.writeCaps[s].next == Some(e.current) && e.next == e.current + 1
    && e.current == w.first[s] + |LogOf(w.log, s)|
    && Cast(Box(s, e.current), Item(e.plaintext, e.sealed)) in w.delivered
  }

  lemma SentKept(w: World, s: Uuid, e: Envelope)
    requires Inv(w) && Sendable(w, s, e)
    ensures Inv(Sent(w, s, e))
  {
    SentTables(w, s, e);
    SentTasks(w, s, e);
    assert e.plaintext !in w.t.sent;
    SentHistory(w, s, e);
  }

  lemma SentTables(w: World, s: Uuid, e: Envelope)
    requires Inv(w) && Sendable(w, s, e)
    ensures
      var w' := Sent(w, s, e);
      && UsedKept(w'.t, w'.sealing, w'.drains, w'.first, w'.claims, w'.used)
      && CursorsKept(w'.t.writeCaps, w'.first, w'.log)
      && QueueKept(w'.t.queue, w'.t.sent, w'.t.writeCaps)
      && FlightKept(w'.t.inFlight, w'.t.queue, w'.t.writeCaps, w'.claims)
      && ClaimsKept(w'.claims, w'.t.inFlight, w'.t.writeCaps, w'.first, w'.log)
  {
    hide UsedKept, CursorsKept, QueueKept, FlightKept, SealingKept, ClaimsKept;
    hide MixnetKept, DrainsKept, PhasesKept, LogKept;
    var p, item := e.plaintext, Item(e.plaintext, e.sealed);
    SentUsed(w, s, p, e.next);
    SentCursors(w.t.writeCaps, w.first, w.log, s, item);
    SentQueue(w.t.queue, w.t.sent, w.t.writeCaps, s, p, e.next);
    SentRows(w.t.inFlight, w.t.queue, w.t.writeCaps, w.claims, s, p, e.next);
    SentClaims(w.claims, w.t.inFlight, w.t.writeCaps, w.first, w.log, s, item, e.next);
  }

  lemma SentTasks(w: World, s: Uuid, e: Envelope)
    requires Inv(w) && Sendable(w, s, e)
    ensures
      var w' := Sent(w, s, e);
      && SealingKept(w'.sealing, w'.t.inFlight, w'.t.queue, w'.t.writeCaps, w'.first, w'.claims)
      && DrainsKept(w'.drains, w'.t.inFlight, w'.t.queue, w'.claims)
  {
    hide UsedKept, CursorsKept, QueueKept, FlightKept, SealingKept, ClaimsKept;
    hide MixnetKept, DrainsKept, PhasesKept, LogKept;
    SentSealing(w.sealing, w.t.inFlight, w.t.queue, w.t.writeCaps, w.first, w.claims, s, e.plaintext, e.next);
    SentDrains(w.drains, w.t.inFlight, w.t.queue, w.claims, s, e.plaintext);
  }

  lemma SentHistory(w: World, s: Uuid, e: Envelope)
    requires PhasesKept(w.drains, w.first, w.log, w.delivered) && LogKept(w.log, w.landed, w.first, w.delivered)
    requires Sendable(w, s, e) && e.plaintext !in w.landed
    ensures
      var w' := Sent(w, s, e);
      && PhasesKept(w'.drains, w'.first, w'.log, w'.delivered)
      && LogKept(w'.log, w'.landed, w'.first, w'.delivered)
  {
    hide PhasesKept, LogKept;
    var item := Item(e.plaintext, e.sealed);
    SentPhases(w.drains, w.first, w.log, w.delivered, s, item);
    SentLog(w.log, w.landed, w.first, w.delivered, s, item);
  }

  lemma SentUsed(w: World, s: Uuid, p: Uuid, next: nat)
    requires UsedKept(w.t, w.sealing, w.drains, w.first, w.claims, w.used) && p in w.t.queue && s in w.t.writeCaps
    ensures UsedKept(Tables(w.t.queue - {p}, w.t.inFlight - {s}, w.t.sent + {p},
                            w.t.writeCaps[s := w.t.writeCaps[s].(next := Some(next))], w.t.readCaps),
                     w.sealing, w.drains, w.first, w.claims, w.used)
  {}

  lemma SentCursors(caps: map<Uuid, WriteCap>, first: map<Uuid, nat>, log: map<Uuid, seq<Item>>, s: Uuid, item: Item)
    requires CursorsKept(caps, first, log) && s in caps && caps[s].next.Some?
    ensures CursorsKept(caps[s := caps[s].(next := Some(caps[s].next.value + 1))], first,
                        log[s := LogOf(log, s) + [item]])
  {}

  lemma SentQueue(queue: map<Uuid, Plaintext>, sent: set<Uuid>, caps: map<Uuid, WriteCap>,
                  s: Uuid, p: Uuid, next: nat)
    requires QueueKept(queue, sent, caps) && s in caps
    ensures QueueKept(queue - {p}, sent + {p}, caps[s := caps[s].(next := Some(next))])
  {}

  lemma SentRows(inFlight: map<Uuid, Envelope>, queue: map<Uuid, Plaintext>, caps: map<Uuid, WriteCap>,
                 claims: map<Box, Item>, s: Uuid, p: Uuid, next: nat)
    requires FlightKept(inFlight, queue, caps, claims)
    requires s in caps && p in queue && queue[p].stream == s
    ensures FlightKept(inFlight - {s}, queue - {p}, caps[s := caps[s].(next := Some(next))], claims)
  {}

  lemma SentSealing(sealing: map<Uuid, Sealing>, inFlight: map<Uuid, Envelope>, queue: map<Uuid, Plaintext>,
                    caps: map<Uuid, WriteCap>, first: map<Uuid, nat>, claims: map<Box, Item>,
                    s: Uuid, p: Uuid, next: nat)
    requires SealingKept(sealing, inFlight, queue, caps, first, claims)
    requires s in inFlight && s in caps && p in queue && queue[p].stream == s
    ensures SealingKept(sealing, inFlight - {s}, queue - {p}, caps[s := caps[s].(next := Some(next))], first, claims)
  {}

  lemma SentClaims(claims: map<Box, Item>, inFlight: map<Uuid, Envelope>, caps: map<Uuid, WriteCap>,
                   first: map<Uuid, nat>, log: map<Uuid, seq<Item>>, s: Uuid, item: Item, next: nat)
    requires ClaimsKept(claims, inFlight, caps, first, log)
    requires s in inFlight && s in caps && s in first && inFlight[s].current == first[s] + |LogOf(log, s)|
    ensures ClaimsKept(claims, inFlight - {s}, caps[s := caps[s].(next := Some(next))], first,
                       log[s := LogOf(log, s) + [item]])
  {}

  lemma SentDrains(drains: set<Drain>, inFlight: map<Uuid, Envelope>, queue: map<Uuid, Plaintext>,
                   claims: map<Box, Item>, s: Uuid, p: Uuid)
    requires DrainsKept(drains, inFlight, queue, claims)
    requires s in inFlight && inFlight[s].plaintext == p
    ensures DrainsKept(drains, inFlight - {s}, queue - {p}, claims)
  {}

  lemma SentPhases(drains: set<Drain>, first: map<Uuid, nat>, log: map<Uuid, seq<Item>>, delivered: set<Cast>,
                   s: Uuid, item: Item)
    requires PhasesKept(drains, first, log, delivered)
    ensures PhasesKept(drains, first, log[s := LogOf(log, s) + [item]], delivered)
  {}

  lemma SentLog(log: map<Uuid, seq<Item>>, landed: map<Uuid, Box>, first: map<Uuid, nat>, delivered: set<Cast>,
                s: Uuid, item: Item)
    requires LogKept(log, landed, first, delivered) && s in first && item.id !in landed
    requires Cast(Box(s, first[s] + |LogOf(log, s)|), item) in delivered
    ensures LogKept(log[s := LogOf(log, s) + [item]], landed[item.id := Box(s, first[s] + |LogOf(log, s)|)],
                    first, delivered)
  {}

  // Cancelling deletes a stream with everything on it, and the indirection
  // row, which no task has sealed.

  lemma CancelKept(w: World, rcw: Uuid, release: Uuid)
    requires Inv(w) && release in w.t.queue && w.t.queue[release].indirection == Some(rcw)
    requires forall s | s in w.sealing :: w.sealing[s].plaintext != release
    requires forall s | s in w.t.inFlight :: w.t.inFlight[s].plaintext != release
    ensures Inv(Cancelled(w, rcw, release))
  {
    hide UsedKept, CursorsKept, QueueKept, FlightKept, SealingKept, ClaimsKept;
    hide MixnetKept, DrainsKept, PhasesKept, LogKept;
    var t := CancelUpload(w.t, rcw, release);
    if release !in t.queue {
      var agg := w.t.readCaps[rcw].writeCap.value;
      CancelledTables(w, t, agg, release);
      CancelledRows(w.t, t, w.claims, agg, release);
      CancelledSealing(w.sealing, w.t, t, w.first, w.claims, agg, release);
      CancelledClaims(w.claims, w.t, t, w.first, w.log, agg, release);
      CancelledDrains(w.drains, w.t, t, w.claims, agg, release);
    }
  }

  lemma CancelledTables(w: World, t: Tables, agg: Uuid, release: Uuid)
    requires UsedKept(w.t, w.sealing, w.drains, w.first, w.claims, w.used)
    requires CursorsKept(w.t.writeCaps, w.first, w.log) && QueueKept(w.t.queue, w.t.sent, w.t.writeCaps)
    requires Cancels(w.t, t, agg, release) && t.sent == w.t.sent && t.readCaps.Keys <= w.t.readCaps.Keys
    ensures UsedKept(t, w.sealing, w.drains, w.first, w.claims, w.used)
    ensures CursorsKept(t.writeCaps, w.first, w.log) && QueueKept(t.queue, t.sent, t.writeCaps)
  {}

  ghost predicate Cancels(t: Tables, t': Tables, agg: Uuid, release: Uuid) {
    && t'.queue == t.queue - Remaining(t, agg) - {release}
    && t'.inFlight == (map s | s in t.inFlight && s != agg && t.inFlight[s].plaintext != release :: t.inFlight[s])
    && t'.writeCaps == t.writeCaps - {agg}
    && (forall s | s in t.inFlight :: t.inFlight[s].plaintext != release)
  }

  lemma CancelledRows(t: Tables, t': Tables, claims: map<Box, Item>, agg: Uuid, release: Uuid)
    requires Cancels(t, t', agg, release) && FlightKept(t.inFlight, t.queue, t.writeCaps, claims)
    ensures FlightKept(t'.inFlight, t'.queue, t'.writeCaps, claims)
  {}

  lemma CancelledSealing(sealing: map<Uuid, Sealing>, t: Tables, t': Tables, first: map<Uuid, nat>,
                         claims: map<Box, Item>, agg: Uuid, release: Uuid)
    requires Cancels(t, t', agg, release)
    requires SealingKept(sealing, t.inFlight, t.queue, t.writeCaps, first, claims)
    requires forall s | s in sealing :: sealing[s].plaintext != release
    ensures SealingKept(sealing, t'.inFlight, t'.queue, t'.writeCaps, first, claims)
  {}

  lemma CancelledClaims(claims: map<Box, Item>, t: Tables, t': Tables, first: map<Uuid, nat>,
                        log: map<Uuid, seq<Item>>, agg: Uuid, release: Uuid)
    requires Cancels(t, t', agg, release) && ClaimsKept(claims, t.inFlight, t.writeCaps, first, log)
    ensures ClaimsKept(claims, t'.inFlight, t'.writeCaps, first, log)
  {}

  lemma CancelledDrains(drains: set<Drain>, t: Tables, t': Tables, claims: map<Box, Item>, agg: Uuid, release: Uuid)
    requires Cancels(t, t', agg, release) && DrainsKept(drains, t.inFlight, t.queue, claims)
    requires FlightKept(t.inFlight, t.queue, t.writeCaps, claims)
    ensures DrainsKept(drains, t'.inFlight, t'.queue, claims)
  {}
}
