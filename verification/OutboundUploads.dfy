/**
  Messages of several boxes are all or nothing: chunk k of an upload lands in
  box k of its stream, the indirection that announces the stream is sealed only
  once every chunk was finalized, and that of a cancelled upload never is.
 */
module OutboundUploads {
  import opened Basics
  import opened OutboundTables
  import opened OutboundRun
  import opened OutboundSafety

  ghost predicate ShapeKept(agg: Uuid, u: Upload, uploads: map<Uuid, Upload>, used: set<Uuid>) {
    && |u.chunks| == |u.payloads| > 0 && Distinct(u.chunks)
    && u.release !in u.chunks && u.main !in uploads
    && agg in used && u.release in used && u.rcw in used && u.main in used
    && (forall k | 0 <= k < |u.chunks| :: u.chunks[k] in used)
  }

  /** The log of the stream is the first chunks, in order. */
  ghost predicate ChunksLogged(u: Upload, entries: seq<Item>)
    requires |u.chunks| == |u.payloads|
  {
    && |entries| <= |u.chunks|
    && forall k | 0 <= k < |entries| :: entries[k] == Item(u.chunks[k], u.payloads[k])
  }

  /** Of an upload not cancelled, the chunks not in the log are queued as they
      were made, and nothing else is queued on its stream. */
  ghost predicate RowsKept(agg: Uuid, u: Upload, queue: map<Uuid, Plaintext>, done: nat)
    requires |u.chunks| == |u.payloads|
  {
    && done <= |u.chunks|
    && (forall k | done <= k < |u.chunks| ::
          u.chunks[k] in queue && queue[u.chunks[k]] == ChunkRow(agg, u.chunks, u.payloads, k))
    && (forall p | p in queue && queue[p].stream == agg :: Pending(u, done, p))
  }

  ghost predicate ReleaseKept(agg: Uuid, u: Upload, queue: map<Uuid, Plaintext>, sent: set<Uuid>) {
    && (u.release in queue ==>
          queue[u.release] == Plaintext(None, Some(agg), u.main, queue[u.release].payload, Some(u.rcw)))
    && (u.release in queue || u.release in sent)
  }

  ghost predicate CapsKept(agg: Uuid, u: Upload, caps: map<Uuid, WriteCap>, readCaps: map<Uuid, ReadCap>) {
    && agg in caps && u.rcw in readCaps
    && readCaps[u.rcw].writeCap == Some(agg) && readCaps[u.rcw].total == Some(|u.chunks|)
  }

  /** Whatever is being sealed or in flight on the stream is the next chunk. */
  ghost predicate TurnKept(agg: Uuid, u: Upload, sealing: map<Uuid, Sealing>, inFlight: map<Uuid, Envelope>,
                           done: nat) {
    && (agg in sealing ==> done < |u.chunks| && sealing[agg].plaintext == u.chunks[done])
    && (agg in inFlight ==> done < |u.chunks| && inFlight[agg].plaintext == u.chunks[done])
  }

  /** The indirection is sealed, claimed a box or sent only when this holds. */
  ghost predicate GateKept(u: Upload, sealing: map<Uuid, Sealing>, claims: map<Box, Item>, sent: set<Uuid>, done: nat) {
    var open := !u.cancelled && done == |u.chunks|;
    && (forall s | s in sealing && sealing[s].plaintext == u.release :: open)
    && (forall b | b in claims && claims[b].id == u.release :: open)
    && (u.release in sent ==> open)
  }

  /** The bytes that announce a stream of `total` boxes read by `cap`. */
  predicate Announces(payload: Bytes, total: nat, cap: Option<Bytes>) {
    cap.Some? && total < TWO_32 && payload == [MARK_I] + BigEndian32(total) + cap.value
  }

  /** Whatever carries the indirection announces the upload's own stream. */
  ghost predicate AnnounceKept(u: Upload, queue: map<Uuid, Plaintext>, sealing: map<Uuid, Sealing>,
                               claims: map<Box, Item>, cap: Option<Bytes>) {
    && (u.release in queue ==>
          queue[u.release].payload == [] || Announces(queue[u.release].payload, |u.chunks|, cap))
    && (forall s | s in sealing && sealing[s].plaintext == u.release ::
          Announces(sealing[s].payload, |u.chunks|, cap))
    && (forall b | b in claims && claims[b].id == u.release ::
          Announces(claims[b].payload, |u.chunks|, cap))
  }

  ghost predicate UploadKept(agg: Uuid, u: Upload, t: Tables, sealing: map<Uuid, Sealing>,
                             claims: map<Box, Item>, entries: seq<Item>)
    requires |u.chunks| == |u.payloads|
  {
    && ChunksLogged(u, entries)
    && GateKept(u, sealing, claims, t.sent, |entries|)
    && (u.cancelled ==> agg !in t.writeCaps && u.release !in t.queue)
    && (!u.cancelled ==>
          && RowsKept(agg, u, t.queue, |entries|)
          && ReleaseKept(agg, u, t.queue, t.sent)
          && CapsKept(agg, u, t.writeCaps, t.readCaps)
          && TurnKept(agg, u, sealing, t.inFlight, |entries|)
          && AnnounceKept(u, t.queue, sealing, claims, t.readCaps[u.rcw].cap))
  }

  /** Only the indirection row of a live upload is one. */
  ghost predicate IndirectionsKept(queue: map<Uuid, Plaintext>, uploads: map<Uuid, Upload>) {
    forall p | p in queue && queue[p].indirection.Some? ::
      && queue[p].afterStream.Some?
      && var agg := queue[p].afterStream.value;
      agg in uploads && !uploads[agg].cancelled && uploads[agg].release == p
      && uploads[agg].rcw == queue[p].indirection.value
  }

  ghost predicate UploadsKept(w: World) {
    && (forall agg | agg in w.uploads :: ShapeKept(agg, w.uploads[agg], w.uploads, w.used))
    && (forall agg | agg in w.uploads ::
          UploadKept(agg, w.uploads[agg], w.t, w.sealing, w.claims, LogOf(w.log, agg)))
    && IndirectionsKept(w.t.queue, w.uploads)
  }

  lemma StartUploads()
    ensures UploadsKept(START)
  {}

  lemma OpenStreamUploads(w: World, s: Uuid, rcw: Uuid)
    requires UploadsKept(w) && s !in w.used && rcw !in w.used
    ensures UploadsKept(StreamOpened(w, s, rcw))
  {}

  lemma ProvisionCapsUploads(w: World, rcw: Uuid, index: nat, cap: Bytes)
    requires UploadsKept(w) && CanQueue(w, ProvisionCaps(rcw, index, cap))
    ensures UploadsKept(CapsProvisioned(w, rcw, index, cap))
  {
    hide ShapeKept, ChunksLogged, RowsKept, ReleaseKept, TurnKept, GateKept, IndirectionsKept;
  }

  lemma EnqueueBoxUploads(w: World, id: Uuid, s: Uuid, payload: Bytes)
    requires UploadsKept(w) && id !in w.used && s in w.t.writeCaps && s !in w.uploads && w.t.queue.Keys <= w.used
    ensures UploadsKept(BoxEnqueued(w, id, s, payload))
  {
    var w' := BoxEnqueued(w, id, s, payload);
    forall agg | agg in w.uploads
      ensures UploadKept(agg, w.uploads[agg], w'.t, w.sealing, w.claims, LogOf(w.log, agg))
    {
      assert ShapeKept(agg, w.uploads[agg], w.uploads, w.used);
      RowsAddedElsewhere(agg, w.uploads[agg], w.t.queue, w'.t.queue, w.used, |LogOf(w.log, agg)|);
    }
  }

  /** New rows on other streams leave an upload's rows as they were. */
  lemma RowsAddedElsewhere(agg: Uuid, u: Upload, queue: map<Uuid, Plaintext>, queue': map<Uuid, Plaintext>,
                           used: set<Uuid>, done: nat)
    requires |u.chunks| == |u.payloads|
    requires forall k | 0 <= k < |u.chunks| :: u.chunks[k] in used
    requires forall p | p in queue' :: p in queue || (p !in used && queue'[p].stream != agg)
    requires forall p | p in queue :: p in queue' && queue'[p] == queue[p]
    ensures RowsKept(agg, u, queue, done) ==> RowsKept(agg, u, queue', done)
  {}

  lemma EnqueueChunksUploads(w: World, agg: Uuid, u: Upload)
    requires Inv(w) && UploadsKept(w) && Queueable(w, agg, u)
    ensures UploadsKept(ChunksEnqueued(w, agg, u))
  {
    hide CursorsKept, FlightKept, SealingKept, ClaimsKept, MixnetKept, DrainsKept, PhasesKept, LogKept;
    hide ShapeKept, UploadKept, IndirectionsKept;
    UploadsUsed(w);
    OldUploads(w, agg, u);
    NewUpload(w, agg, u);
    UploadsAssembled(w, ChunksEnqueued(w, agg, u), agg);
  }

  lemma UploadsUsed(w: World)
    requires UploadsKept(w)
    ensures w.uploads.Keys <= w.used
  {}

  lemma UploadsAssembled(w: World, w': World, agg: Uuid)
    requires w'.uploads.Keys == w.uploads.Keys + {agg} && agg in w'.uploads
    requires forall a | a in w.uploads && a != agg :: w'.uploads[a] == w.uploads[a]
    requires forall a | a in w.uploads && a != agg ::
        && ShapeKept(a, w.uploads[a], w'.uploads, w'.used)
        && UploadKept(a, w.uploads[a], w'.t, w'.sealing, w'.claims, LogOf(w'.log, a))
    requires ShapeKept(agg, w'.uploads[agg], w'.uploads, w'.used)
    requires UploadKept(agg, w'.uploads[agg], w'.t, w'.sealing, w'.claims, LogOf(w'.log, agg))
    requires IndirectionsKept(w'.t.queue, w'.uploads)
    ensures UploadsKept(w')
  {}

  lemma OldUploads(w: World, agg: Uuid, u: Upload)
    requires UploadsKept(w) && Queueable(w, agg, u)
    requires w.t.queue.Keys <= w.used && w.t.writeCaps.Keys <= w.used
    ensures
      var w' := ChunksEnqueued(w, agg, u);
      && (forall a | a in w.uploads :: ShapeKept(a, w.uploads[a], w'.uploads, w'.used))
      && (forall a | a in w.uploads :: UploadKept(a, w.uploads[a], w'.t, w.sealing, w.claims, LogOf(w.log, a)))
  {
    forall a | a in w.uploads
      ensures UploadKept(a, w.uploads[a], ChunksEnqueued(w, agg, u).t, w.sealing, w.claims, LogOf(w.log, a))
    {
      assert ShapeKept(a, w.uploads[a], w.uploads, w.used) && w.uploads[a].main != agg;
      OldUpload(a, w.uploads[a], w, agg, u);
    }
  }

  lemma OldUpload(a: Uuid, v: Upload, w: World, agg: Uuid, u: Upload)
    requires |v.chunks| == |v.payloads| && a in w.used && v.release in w.used && v.rcw in w.used
    requires forall k | 0 <= k < |v.chunks| :: v.chunks[k] in w.used
    requires UploadKept(a, v, w.t, w.sealing, w.claims, LogOf(w.log, a))
    requires Queueable(w, agg, u) && w.t.queue.Keys <= w.used && w.t.writeCaps.Keys <= w.used && a != u.main
    ensures UploadKept(a, v, ChunksEnqueued(w, agg, u).t, w.sealing, w.claims, LogOf(w.log, a))
  {
    EnqueuedRows(w.t.queue, agg, u, w.used);
    var queue := w.t.queue + ChunkRows(agg, u.chunks, u.payloads) + map[u.release := ReleaseRow(agg, u)];
    assert ChunksEnqueued(w, agg, u).t.queue == queue;
    RowsAddedElsewhere(a, v, w.t.queue, queue, w.used, |LogOf(w.log, a)|);
  }

  lemma NewUpload(w: World, agg: Uuid, u: Upload)
    requires Inv(w) && Queueable(w, agg, u) && IndirectionsKept(w.t.queue, w.uploads) && agg !in w.uploads
    ensures
      var w' := ChunksEnqueued(w, agg, u);
      && ShapeKept(agg, u, w'.uploads, w'.used)
      && UploadKept(agg, u, w'.t, w.sealing, w.claims, LogOf(w.log, agg))
      && IndirectionsKept(w'.t.queue, w'.uploads)
  {
    var w' := ChunksEnqueued(w, agg, u);
    EnqueuedRows(w.t.queue, agg, u, w.used);
    assert w'.t.queue == w.t.queue + ChunkRows(agg, u.chunks, u.payloads) + map[u.release := ReleaseRow(agg, u)];
    assert LogOf(w.log, agg) == [];
    assert agg !in w.t.writeCaps && u.release !in w.t.sent;
    NewUploadRows(w.t.queue, w'.t.queue, agg, u, w.t.writeCaps);
    NewUploadIndirections(w.t.queue, w'.t.queue, agg, u, w.uploads);
  }

  lemma NewUploadRows(queue: map<Uuid, Plaintext>, queue': map<Uuid, Plaintext>, agg: Uuid, u: Upload,
                      caps: map<Uuid, WriteCap>)
    requires |u.chunks| == |u.payloads| && u.main != agg
    requires forall p | p in queue :: queue[p].stream in caps && p in queue' && queue'[p] == queue[p]
    requires agg !in caps && u.release in queue' && queue'[u.release].stream == u.main
    requires forall k | 0 <= k < |u.chunks| ::
        u.chunks[k] in queue' && queue'[u.chunks[k]] == ChunkRow(agg, u.chunks, u.payloads, k)
    requires forall p | p in queue' && p !in queue && p != u.release :: Pending(u, 0, p)
    ensures RowsKept(agg, u, queue', 0)
  {}

  lemma NewUploadIndirections(queue: map<Uuid, Plaintext>, queue': map<Uuid, Plaintext>, agg: Uuid, u: Upload,
                              uploads: map<Uuid, Upload>)
    requires IndirectionsKept(queue, uploads) && agg !in uploads && !u.cancelled
    requires forall p | p in queue :: p in queue' && queue'[p] == queue[p]
    requires u.release in queue' && queue'[u.release] == Plaintext(None, Some(agg), u.main, [], Some(u.rcw))
    requires forall p | p in queue' && p !in queue && p != u.release :: queue'[p].indirection.None?
    ensures IndirectionsKept(queue', uploads[agg := u])
  {}

  // What the sweep picks on an upload's stream is its next chunk; it picks the
  // indirection only when no chunk is queued.

  lemma DispatchUploads(w: World, id: Uuid)
    requires Inv(w) && UploadsKept(w) && Eligible(w.t, w.sealing.Keys, id) && ToSeal(w.t, id).Some?
    ensures UploadsKept(Dispatched(w, id))
  {
    var w' := Dispatched(w, id);
    forall agg | agg in w.uploads
      ensures UploadKept(agg, w.uploads[agg], w'.t, w'.sealing, w.claims, LogOf(w.log, agg))
    {
      DispatchUpload(w, agg, id);
    }
  }

  lemma DispatchUpload(w: World, agg: Uuid, id: Uuid)
    requires Inv(w) && UploadsKept(w) && agg in w.uploads
    requires Eligible(w.t, w.sealing.Keys, id) && ToSeal(w.t, id).Some?
    ensures
      var payload := ToSeal(w.t, id).value;
      UploadKept(agg, w.uploads[agg], FillIn(w.t, id, payload),
                 w.sealing[w.t.queue[id].stream := Sealing(id, payload, None)], w.claims, LogOf(w.log, agg))
  {
    var u := w.uploads[agg];
    assert UploadKept(agg, u, w.t, w.sealing, w.claims, LogOf(w.log, agg));
    DispatchedUpload(agg, u, w.t, w.sealing, w.claims, LogOf(w.log, agg), id);
  }

  lemma DispatchedUpload(agg: Uuid, u: Upload, t: Tables, sealing: map<Uuid, Sealing>, claims: map<Box, Item>,
                         entries: seq<Item>, id: Uuid)
    requires |u.chunks| == |u.payloads| && UploadKept(agg, u, t, sealing, claims, entries)
    requires QueueKept(t.queue, t.sent, t.writeCaps)
    requires Eligible(t, sealing.Keys, id) && ToSeal(t, id).Some?
    ensures
      var payload := ToSeal(t, id).value;
      UploadKept(agg, u, FillIn(t, id, payload), sealing[t.queue[id].stream := Sealing(id, payload, None)],
                 claims, entries)
  {
    if !u.cancelled {
      DispatchRows(agg, u, t, |entries|, id);
      DispatchGate(agg, u, t, |entries|, id);
    }
  }

  lemma DispatchRows(agg: Uuid, u: Upload, t: Tables, done: nat, id: Uuid)
    requires |u.chunks| == |u.payloads| && RowsKept(agg, u, t.queue, done)
    requires QueueKept(t.queue, t.sent, t.writeCaps)
    requires Eligible(t, {}, id) && ToSeal(t, id).Some?
    ensures RowsKept(agg, u, FillIn(t, id, ToSeal(t, id).value).queue, done)
    ensures t.queue[id].stream == agg ==> done < |u.chunks| && id == u.chunks[done]
  {}

  lemma DispatchGate(agg: Uuid, u: Upload, t: Tables, done: nat, id: Uuid)
    requires |u.chunks| == |u.payloads| && RowsKept(agg, u, t.queue, done) && ReleaseKept(agg, u, t.queue, t.sent)
    requires Eligible(t, {}, id)
    ensures id == u.release ==> done == |u.chunks|
  {
    assert done < |u.chunks| ==> u.chunks[done] in Remaining(t, agg);
  }

  lemma SealingChanged(w: World, sealing: map<Uuid, Sealing>)
    requires UploadsKept(w)
    requires forall s | s in sealing ::
        s in w.sealing && sealing[s].plaintext == w.sealing[s].plaintext && sealing[s].payload == w.sealing[s].payload
    ensures UploadsKept(w.(sealing := sealing))
  {
    hide ShapeKept, ChunksLogged, RowsKept, ReleaseKept, CapsKept, IndirectionsKept;
  }

  /** What is left of an upload by a step that touches nothing it is about. */
  lemma UploadsAside(w: World, w': World)
    requires UploadsKept(w) && w'.t == w.t && w'.sealing == w.sealing && w'.claims == w.claims
    requires w'.log == w.log && w'.used == w.used && w'.uploads == w.uploads
    ensures UploadsKept(w')
  {
    hide ShapeKept, UploadKept, IndirectionsKept;
  }

  lemma CommitEnvelopeUploads(w: World, s: Uuid, e: Envelope)
    requires UploadsKept(w) && s in w.sealing && s !in w.t.inFlight
    requires e.plaintext == w.sealing[s].plaintext && e.sealed == w.sealing[s].payload
    requires Box(s, e.current) !in w.claims
    ensures UploadsKept(w.(t := w.t.(inFlight := w.t.inFlight[s := e]), sealing := w.sealing - {s},
                           claims := w.claims[Box(s, e.current) := Item(e.plaintext, e.sealed)]))
  {}

  lemma DropUploads(w: World, s: Uuid, id: Uuid)
    requires UploadsKept(w)
    ensures UploadsKept(w.(t := DropRow(w.t, s, id)))
  {}

  lemma RemintUploads(w: World, s: Uuid, id: Uuid, hash: nat, payload: Bytes)
    requires UploadsKept(w)
    ensures UploadsKept(w.(t := Remint(w.t, s, id, hash, payload)))
  {}

  lemma SetPausedUploads(w: World, s: Uuid, paused: bool)
    requires UploadsKept(w) && s in w.t.writeCaps
    ensures UploadsKept(w.(t := w.t.(writeCaps := w.t.writeCaps[s := w.t.writeCaps[s].(paused := paused)])))
  {}

  lemma SentUploads(w: World, s: Uuid, e: Envelope)
    requires Inv(w) && UploadsKept(w) && Sendable(w, s, e) && w.t.queue[e.plaintext].payload == e.sealed
    ensures UploadsKept(Sent(w, s, e))
  {
    forall agg | agg in w.uploads
      ensures UploadKept(agg, w.uploads[agg], Sent(w, s, e).t, w.sealing, w.claims, LogOf(Sent(w, s, e).log, agg))
    {
      SentUpload(w, agg, s, e);
    }
  }

  lemma SentUpload(w: World, agg: Uuid, s: Uuid, e: Envelope)
    requires Inv(w) && UploadsKept(w) && agg in w.uploads
    requires Sendable(w, s, e) && w.t.queue[e.plaintext].payload == e.sealed
    ensures UploadKept(agg, w.uploads[agg], Sent(w, s, e).t, w.sealing, w.claims, LogOf(Sent(w, s, e).log, agg))
  {
    var u := w.uploads[agg];
    assert ShapeKept(agg, u, w.uploads, w.used);
    assert UploadKept(agg, u, w.t, w.sealing, w.claims, LogOf(w.log, agg));
    assert FlightRowKept(s, w.t.inFlight[s], w.t.queue, w.t.writeCaps, w.claims);
    assert w.claims[Box(s, e.current)].id == e.plaintext;
    if agg == s {
      assert s !in w.sealing;
      SentChunk(w, s, u, e);
    } else {
      SentElsewhere(agg, u, w, s, e);
    }
  }

  lemma SentChunk(w: World, s: Uuid, u: Upload, e: Envelope)
    requires |u.chunks| == |u.payloads| && Distinct(u.chunks) && u.release !in u.chunks
    requires UploadKept(s, u, w.t, w.sealing, w.claims, LogOf(w.log, s))
    requires Sendable(w, s, e) && w.t.queue[e.plaintext].payload == e.sealed && s !in w.sealing
    ensures UploadKept(s, u, Sent(w, s, e).t, w.sealing, w.claims, LogOf(Sent(w, s, e).log, s))
  {
    var entries := LogOf(w.log, s);
    var done := |entries|;
    assert w.t.queue[u.chunks[done]] == ChunkRow(s, u.chunks, u.payloads, done);
    SentChunkRows(s, u, w.t.queue, done);
    assert LogOf(Sent(w, s, e).log, s) == entries + [Item(u.chunks[done], u.payloads[done])];
    assert ChunksLogged(u, LogOf(Sent(w, s, e).log, s));
  }

  lemma SentElsewhere(agg: Uuid, u: Upload, w: World, s: Uuid, e: Envelope)
    requires |u.chunks| == |u.payloads| && agg != s
    requires UploadKept(agg, u, w.t, w.sealing, w.claims, LogOf(w.log, agg))
    requires Sendable(w, s, e) && Box(s, e.current) in w.claims && w.claims[Box(s, e.current)].id == e.plaintext
    ensures UploadKept(agg, u, Sent(w, s, e).t, w.sealing, w.claims, LogOf(Sent(w, s, e).log, agg))
  {}

  lemma SentChunkRows(agg: Uuid, u: Upload, queue: map<Uuid, Plaintext>, done: nat)
    requires |u.chunks| == |u.payloads| && Distinct(u.chunks) && RowsKept(agg, u, queue, done) && done < |u.chunks|
    ensures RowsKept(agg, u, queue - {u.chunks[done]}, done + 1)
  {}

  // Cancelling finds a chunk still queued, so the gate was never open.

  lemma CancelUploads(w: World, rcw: Uuid, release: Uuid)
    requires UploadsKept(w) && release in w.t.queue && w.t.queue[release].indirection == Some(rcw)
    ensures UploadsKept(Cancelled(w, rcw, release))
  {
    if release !in CancelUpload(w.t, rcw, release).queue {
      CancelFinds(w, rcw, release);
      CancelledIndirections(w, rcw, release);
      CancelledShapes(w, w.t.readCaps[rcw].writeCap.value);
      var w' := Cancelled(w, rcw, release);
      forall a | a in w'.uploads
        ensures UploadKept(a, w'.uploads[a], w'.t, w'.sealing, w'.claims, LogOf(w'.log, a))
      {
        CancelledUpload(w, rcw, release, a);
      }
    }
  }

  lemma CancelledShapes(w: World, agg: Uuid)
    requires UploadsKept(w) && agg in w.uploads
    ensures
      var uploads := w.uploads[agg := w.uploads[agg].(cancelled := true)];
      forall a | a in uploads :: ShapeKept(a, uploads[a], uploads, w.used)
  {}

  /** The indirection row names its upload, and a row on the upload's stream
      means that not every chunk was sent. */
  lemma CancelFinds(w: World, rcw: Uuid, release: Uuid)
    requires UploadsKept(w) && release in w.t.queue && w.t.queue[release].indirection == Some(rcw)
    ensures rcw in w.t.readCaps && w.t.readCaps[rcw].writeCap.Some?
    ensures
      var agg := w.t.readCaps[rcw].writeCap.value;
      && agg in w.uploads && !w.uploads[agg].cancelled
      && w.uploads[agg].release == release && w.uploads[agg].rcw == rcw
      && w.t.queue[release].afterStream == Some(agg)
      && (Remaining(w.t, agg) != {} ==> |LogOf(w.log, agg)| < |w.uploads[agg].chunks|)
  {}

  lemma CancelledUpload(w: World, rcw: Uuid, release: Uuid, a: Uuid)
    requires UploadsKept(w) && release in w.t.queue && w.t.queue[release].indirection == Some(rcw)
    requires release !in CancelUpload(w.t, rcw, release).queue && a in w.uploads
    ensures
      var agg := w.t.readCaps[rcw].writeCap.value;
      var u := if a == agg then w.uploads[a].(cancelled := true) else w.uploads[a];
      UploadKept(a, u, CancelUpload(w.t, rcw, release), w.sealing, w.claims, LogOf(w.log, a))
  {}

  lemma CancelledIndirections(w: World, rcw: Uuid, release: Uuid)
    requires UploadsKept(w) && release in w.t.queue && w.t.queue[release].indirection == Some(rcw)
    requires release !in CancelUpload(w.t, rcw, release).queue
    ensures
      var agg := w.t.readCaps[rcw].writeCap.value;
      agg in w.uploads
      && IndirectionsKept(CancelUpload(w.t, rcw, release).queue, w.uploads[agg := w.uploads[agg].(cancelled := true)])
  {}
}
