/**
  The tables of the outbound write-ahead log and the transactions on them, as
  values: `PlaintextWAL` (queue), `MixWAL` (inFlight), `SentLog` (sent),
  `WriteCapWAL` (writeCaps) and `ReadCapWAL` (readCaps).

  A box of a BACAP stream is named by a number here: boxes of one stream are
  injectively numbered and the index after `i` is `i + 1`.
 */
module OutboundTables {
  import opened Basics

  type Uuid = nat

  /** A `PlaintextWAL` row. */
  datatype Plaintext = Plaintext(
    afterId: Option<Uuid>,
    afterStream: Option<Uuid>,
    stream: Uuid,
    payload: Bytes,
    indirection: Option<Uuid>)

  /** A write row of `MixWAL`: `sealed` is the plaintext its ciphertext carries. */
  datatype Envelope = Envelope(
    id: Uuid,
    plaintext: Uuid,
    hash: nat,
    sealed: Bytes,
    current: nat,
    next: nat)

  /** A `WriteCapWAL` row; `next` is None until the write cap is provisioned. */
  datatype WriteCap = WriteCap(next: Option<nat>, paused: bool)

  /** A `ReadCapWAL` row. */
  datatype ReadCap = ReadCap(writeCap: Option<Uuid>, cap: Option<Bytes>, total: Option<nat>)

  /** `MixWAL.bacap_stream` is unique, so that table is a map from streams. */
  datatype Tables = Tables(
    queue: map<Uuid, Plaintext>,
    inFlight: map<Uuid, Envelope>,
    sent: set<Uuid>,
    writeCaps: map<Uuid, WriteCap>,
    readCaps: map<Uuid, ReadCap>)

  const TWO_32 := 0x1_0000_0000

  function BigEndian32(n: nat): (r: Bytes)
    requires n < TWO_32
    ensures |r| == 4
  {
    [n / 0x100_0000, n / 0x1_0000 % 256, n / 0x100 % 256, n % 256]
  }

  /** The rows still queued on `stream`. */
  function Remaining(t: Tables, stream: Uuid): set<Uuid> {
    set p | p in t.queue && t.queue[p].stream == stream
  }

  /** `PlaintextWAL.find_resendable`, for one row. */
  predicate Eligible(t: Tables, encrypting: set<Uuid>, id: Uuid) {
    && id in t.queue
    && var row := t.queue[id];
    && row.stream !in t.inFlight
    && row.stream !in encrypting
    && (row.afterId.Some? ==> row.afterId.value in t.sent)
    && (row.afterStream.Some? ==> Remaining(t, row.afterStream.value) == {})
    && (row.indirection.Some? ==>
          row.indirection.value in t.readCaps && t.readCaps[row.indirection.value].cap.Some?)
    && row.stream in t.writeCaps
    && t.writeCaps[row.stream].next.Some?
    && !t.writeCaps[row.stream].paused
  }

  /** What an eligible row is sealed with: its payload, or for an indirection
      not yet filled in, the substream's read cap behind its chunk count. None
      when the count does not fit the wire format's four bytes. */
  function ToSeal(t: Tables, id: Uuid): Option<Bytes>
    requires Eligible(t, {}, id)
  {
    var row := t.queue[id];
    if row.indirection.None? || row.payload != [] then Some(row.payload)
    else
      var cap := t.readCaps[row.indirection.value];
      if cap.total.None? then Some([MARK_I] + cap.cap.value)
      else if cap.total.value < TWO_32 then Some([MARK_I] + BigEndian32(cap.total.value) + cap.cap.value)
      else None
  }

  /** The sweep writes back the payload of an indirection it filled in. */
  function FillIn(t: Tables, id: Uuid, payload: Bytes): Tables
    requires id in t.queue
  {
    t.(queue := t.queue[id := t.queue[id].(payload := payload)])
  }

  /** The insert that ends `start_resending`; a second row for the stream
      breaks the unique constraint and changes nothing. */
  function InsertEnvelope(t: Tables, stream: Uuid, e: Envelope): Tables {
    if stream in t.inFlight then t else t.(inFlight := t.inFlight[stream := e])
  }

  predicate HasRow(t: Tables, stream: Uuid, id: Uuid) {
    stream in t.inFlight && t.inFlight[stream].id == id
  }

  /** Delete the `MixWAL` row with this id, if it is still there. */
  function DropRow(t: Tables, stream: Uuid, id: Uuid): Tables {
    if HasRow(t, stream, id) then t.(inFlight := t.inFlight - {stream}) else t
  }

  /** `_remint_mixwal`: a fresh envelope onto the row, if it is still there. */
  function Remint(t: Tables, stream: Uuid, id: Uuid, hash: nat, payload: Bytes): Tables {
    if HasRow(t, stream, id) then
      var row := t.inFlight[stream];
      t.(inFlight := t.inFlight[stream := row.(hash := hash, sealed := payload, next := row.current + 1)])
    else t
  }

  /** `_read_wcw_precheck`. */
  function Precheck(t: Tables, stream: Uuid): Option<nat> {
    if stream in t.writeCaps then t.writeCaps[stream].next else None
  }

  /** `_mark_sent_txn`. */
  function MarkSent(t: Tables, stream: Uuid, e: Envelope): Tables {
    if e.plaintext !in t.queue then DropRow(t, stream, e.id)
    else
      var advanced :=
        if stream in t.writeCaps
        then t.writeCaps[stream := t.writeCaps[stream].(next := Some(e.next))]
        else t.writeCaps;
      DropRow(t, stream, e.id).(
        sent := t.sent + {e.plaintext},
        writeCaps := advanced,
        queue := t.queue - {e.plaintext})
  }

  /** `_finalize_stale_ack`. */
  function FinalizeStale(t: Tables, stream: Uuid, e: Envelope): Tables {
    var dropped := DropRow(t, stream, e.id);
    if e.plaintext !in t.queue then dropped
    else dropped.(sent := t.sent + {e.plaintext}, queue := t.queue - {e.plaintext})
  }

  /** Whether the regression guard in `SentLog.mark_sent` takes the stale path. */
  predicate Stale(realNext: Option<nat>, e: Envelope) {
    realNext.Some? && realNext.value >= e.next
  }

  /** The deletes of `cancel_upload`, for the indirection row `i` of `rcw`.
      Nothing happens once every chunk was acknowledged. */
  function CancelUpload(t: Tables, rcw: Uuid, i: Uuid): Tables
    requires i in t.queue && t.queue[i].indirection == Some(rcw)
  {
    if rcw !in t.readCaps || t.readCaps[rcw].writeCap.None? then t
    else
      var agg := t.readCaps[rcw].writeCap.value;
      if Remaining(t, agg) == {} then t
      else Tables(
        t.queue - Remaining(t, agg) - {i},
        (map s | s in t.inFlight && s != agg && t.inFlight[s].plaintext != i :: t.inFlight[s]),
        t.sent,
        t.writeCaps - {agg},
        t.readCaps - {rcw})
  }

  /** `provision_read_caps`, for one pair of rows. */
  function Provision(t: Tables, rcw: Uuid, first: nat, cap: Bytes): Tables
    requires rcw in t.readCaps && t.readCaps[rcw].writeCap.Some?
    requires t.readCaps[rcw].writeCap.value in t.writeCaps
  {
    var s := t.readCaps[rcw].writeCap.value;
    t.(writeCaps := t.writeCaps[s := t.writeCaps[s].(next := Some(first))],
    readCaps := t.readCaps[rcw := t.readCaps[rcw].(cap := Some(cap))])
  }

  /** `upload_progress_after_ack`: chunks sent of the total. */
  function ChunksSent(t: Tables, agg: Uuid, total: nat): int {
    total - |Remaining(t, agg)|
  }

  /** What `UploadAck` reports of a substream. */
  datatype Progress = Progress(rcw: Uuid, done: int, total: nat, bytesLeft: int)

  /** A read cap row that is the indirection of an outbound substream. */
  predicate Announcing(t: Tables, rcw: Uuid, agg: Uuid) {
    rcw in t.readCaps && t.readCaps[rcw].writeCap == Some(agg) && t.readCaps[rcw].total.Some?
  }

  /** The payload bytes of these rows, without their markers. */
  ghost function BytesOf(queue: map<Uuid, Plaintext>, ids: set<Uuid>): int
    requires ids <= queue.Keys
    decreases |ids|
  {
    if ids == {} then 0
    else
      var p :| p in ids;
      |queue[p].payload| - 1 + BytesOf(queue, ids - {p})
  }

  lemma {:induction false} BytesOfWithout(queue: map<Uuid, Plaintext>, ids: set<Uuid>, p: Uuid)
    requires ids <= queue.Keys && p in ids
    ensures BytesOf(queue, ids) == |queue[p].payload| - 1 + BytesOf(queue, ids - {p})
    decreases |ids|
  {
    var q :| q in ids && BytesOf(queue, ids) == |queue[q].payload| - 1 + BytesOf(queue, ids - {q});
    if q != p {
      BytesOfWithout(queue, ids - {q}, p);
      BytesOfWithout(queue, ids - {p}, q);
      assert ids - {p} - {q} == ids - {q} - {p};
    }
  }

  lemma BytesOfMore(queue: map<Uuid, Plaintext>, ids: set<Uuid>, p: Uuid)
    requires ids <= queue.Keys && p in queue && p !in ids
    ensures |ids + {p}| == |ids| + 1
    ensures BytesOf(queue, ids + {p}) == |queue[p].payload| - 1 + BytesOf(queue, ids)
  {
    BytesOfWithout(queue, ids + {p}, p);
    assert ids + {p} - {p} == ids;
  }

  predicate Distinct(ids: seq<Uuid>) {
    forall i, j | 0 <= i < j < |ids| :: ids[i] != ids[j]
  }

  /** The rows of one chunked message: each chunk after the one before it. */
  function ChunkRows(agg: Uuid, chunks: seq<Uuid>, payloads: seq<Bytes>): (r: map<Uuid, Plaintext>)
    requires |chunks| == |payloads| && Distinct(chunks)
  {
    map k | 0 <= k < |chunks| :: chunks[k] := ChunkRow(agg, chunks, payloads, k)
  }

  function ChunkRow(agg: Uuid, chunks: seq<Uuid>, payloads: seq<Bytes>, k: nat): Plaintext
    requires k < |chunks| == |payloads|
  {
    Plaintext(if k == 0 then None else Some(chunks[k - 1]), None, agg, payloads[k], None)
  }

  /** The queue with those rows, and behind them the indirection's. */
  function UploadQueued(queue: map<Uuid, Plaintext>, agg: Uuid, chunks: seq<Uuid>, payloads: seq<Bytes>,
                        release: Uuid, row: Plaintext): map<Uuid, Plaintext>
    requires |chunks| == |payloads| && Distinct(chunks)
  {
    queue + ChunkRows(agg, chunks, payloads) + map[release := row]
  }

  /** The rows `SendOperation.serialize` makes for a message of several boxes. */
  function EnqueueUpload(t: Tables, agg: Uuid, chunks: seq<Uuid>, payloads: seq<Bytes>,
                         rcw: Uuid, release: Uuid, main: Uuid): Tables
    requires |chunks| == |payloads| && Distinct(chunks)
  {
    t.(queue := UploadQueued(t.queue, agg, chunks, payloads, release,
                             Plaintext(None, Some(agg), main, [], Some(rcw))),
    writeCaps := t.writeCaps[agg := WriteCap(None, false)],
    readCaps := t.readCaps[rcw := ReadCap(Some(agg), None, Some(|chunks|))])
  }
}
